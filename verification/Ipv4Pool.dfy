/**
 * Addresses of AmneziaWG clients: the byte-wise arithmetic of the allocator, what it allocates, and
 * the pools that configurations give it.
 */
module Ipv4Pool {
  import opened Numbers
  import opened Wrappers

  const SPACE: int := 0x1_0000_0000
  const MAX: int := SPACE - 1

  type Ip = ip: seq<Byte> | |ip| == 4 witness [0, 0, 0, 0]

  /** The 32-bit number of an address, most significant byte first. */
  function Value(ip: Ip): int {
    ((ip[0] as int * 256 + ip[1] as int) * 256 + ip[2] as int) * 256 + ip[3] as int
  }

  lemma ValueIsInjective(a: Ip, b: Ip)
    requires Value(a) == Value(b)
    ensures a == b
  {
    assert a[0] == b[0];
    assert a[1] == b[1];
    assert a[2] == b[2];
  }

  /** `compareIP` orders addresses as their numbers. */
  method CompareIP(a: Ip, b: Ip) returns (c: int)
    ensures c == -1 || c == 0 || c == 1
    ensures (c < 0 <==> Value(a) < Value(b)) && (c > 0 <==> Value(a) > Value(b))
  {
    for i := 0 to 4
      invariant forall k :: 0 <= k < i ==> a[k] == b[k]
    {
      if a[i] < b[i] {
        return -1;
      }
      if a[i] > b[i] {
        return 1;
      }
    }
    return 0;
  }

  function Successor(b: Byte): Byte {
    if b == 255 then 0 else b + 1
  }

  /** A sum reduced to 32 bits. */
  function Wrapped(n: int): int {
    if n < SPACE then n else n - SPACE
  }

  /** `nextIP` adds one, with carry from byte to byte and wrap-around at the end of the space. */
  method NextIP(ip: Ip) returns (out: Ip)
    ensures Value(out) == Wrapped(Value(ip) + 1)
  {
    out := ip;
    var i := 3;
    while i >= 0
      invariant -1 <= i <= 3 && |out| == 4
      invariant forall k :: 0 <= k <= i ==> out[k] == ip[k]
      invariant forall k :: i < k < 4 ==> ip[k] == 255 && out[k] == 0
    {
      out := out[i := Successor(out[i])];
      if out[i] != 0 {
        return;
      }
      i := i - 1;
    }
  }

  // ---------------------------------------------------------------- allocation

  function Taken(server: Ip, clients: seq<Ip>): set<int> {
    {Value(server)} + set ip | ip in clients :: Value(ip)
  }

  /** The least number of a range that is not taken. */
  ghost predicate LeastFree(lo: int, hi: int, taken: set<int>, n: int) {
    lo <= n <= hi && n !in taken && forall k :: lo <= k < n ==> k in taken
  }

  ghost predicate Exhausted(lo: int, hi: int, taken: set<int>) {
    forall k :: lo <= k <= hi ==> k in taken
  }

  /**
   * What the allocator finds in a pool: its least free address, or nothing if it is exhausted; but a pool
   * that ends at 255.255.255.255 is left by wrapping around to the least free address below it.
   */
  ghost predicate Allocation(lo: int, hi: int, taken: set<int>, found: Option<int>) {
    if !Exhausted(lo, hi, taken) then found.Some? && LeastFree(lo, hi, taken, found.value)
    else if hi < MAX then found.None?
    else found.Some? && LeastFree(0, lo - 1, taken, found.value)
  }

  /** The first n addresses from lo on, going around, are taken. */
  ghost predicate Scanned(lo: int, n: int, taken: set<int>) {
    && 0 <= lo <= MAX && 0 <= n <= SPACE
    && (forall k :: lo <= k < lo + n && k <= MAX ==> k in taken)
    && (forall k :: 0 <= k < lo + n - SPACE ==> k in taken)
  }

  lemma ScanFound(lo: int, hi: int, n: int, taken: set<int>)
    requires Scanned(lo, n, taken) && n < SPACE && lo <= hi <= MAX && Wrapped(lo + n) !in taken
    requires (n <= hi - lo + 1 || hi == MAX) && Wrapped(lo + n) <= hi
    ensures Allocation(lo, hi, taken, Some(Wrapped(lo + n)))
  {
    var found := Wrapped(lo + n);
    if lo + n < SPACE {
      assert LeastFree(lo, hi, taken, found);
      assert !Exhausted(lo, hi, taken);
    } else {
      assert forall k :: lo <= k <= MAX ==> k in taken;
      assert LeastFree(0, lo - 1, taken, found);
    }
  }

  lemma ScanExhausted(lo: int, hi: int, n: int, taken: set<int>)
    requires Scanned(lo, n, taken) && lo <= hi < MAX && n <= hi - lo + 1 && Wrapped(lo + n) > hi
    ensures Allocation(lo, hi, taken, None)
  {
  }

  ghost predicate SomeFree(taken: set<int>) {
    exists k :: 0 <= k <= MAX && k !in taken
  }

  /** A scan that has found only taken addresses so far has not been all around. */
  lemma ScanContinues(lo: int, hi: int, n: int, taken: set<int>)
    requires lo <= hi <= MAX && (hi == MAX ==> SomeFree(taken)) && (n <= hi - lo + 1 || hi == MAX)
    requires Scanned(lo, n, taken) && n < SPACE && Wrapped(lo + n) <= hi && Wrapped(lo + n) in taken
    ensures Scanned(lo, n + 1, taken) && n + 1 < SPACE && (n + 1 <= hi - lo + 1 || hi == MAX)
  {
    if hi == MAX {
      var k :| 0 <= k <= MAX && k !in taken;
      assert !(lo <= k < lo + n);
      assert !(0 <= k < lo + n - SPACE);
    }
  }

  /** `nextAvailableIPv4`: a malformed pool is refused; the rest of the cases are those of `Allocation`. */
  method NextAvailable(first: Option<Ip>, last: Option<Ip>, server: Ip, clients: seq<Ip>) returns (r: Result<Ip>)
    requires last.Some? && Value(last.value) == MAX ==> SomeFree(Taken(server, clients))
    ensures first.None? || last.None? || Value(first.value) > Value(last.value) ==> r.Err?
    ensures first.Some? && last.Some? && Value(first.value) <= Value(last.value) ==>
              Allocation(Value(first.value), Value(last.value), Taken(server, clients), if r.Ok? then Some(Value(r.value)) else None)
  {
    if first.None? || last.None? {
      return Err;
    }
    var order := CompareIP(first.value, last.value);
    if order > 0 {
      return Err;
    }
    var used := {server} + set ip | ip in clients;
    ghost var lo, hi, taken := Value(first.value), Value(last.value), Taken(server, clients);
    ghost var n := 0;
    var current := first.value;
    while order <= 0
      invariant n < SPACE && Scanned(lo, n, taken) && Value(current) == Wrapped(lo + n)
      invariant order <= 0 <==> Value(current) <= hi
      invariant n <= hi - lo + 1 || hi == MAX
      decreases SPACE - n
    {
      if current !in used {
        FreeNumber(used, server, clients, current);
        ScanFound(lo, hi, n, taken);
        return Ok(current);
      }
      ScanContinues(lo, hi, n, taken);
      current := NextIP(current);
      n := n + 1;
      order := CompareIP(current, last.value);
    }
    ScanExhausted(lo, hi, n, taken);
    return Err;
  }

  lemma FreeNumber(used: set<Ip>, server: Ip, clients: seq<Ip>, ip: Ip)
    requires used == {server} + (set a | a in clients) && ip !in used
    ensures Value(ip) !in Taken(server, clients)
  {
    if Value(ip) in Taken(server, clients) {
      var a :| (a == server || a in clients) && Value(a) == Value(ip);
      ValueIsInjective(a, ip);
    }
  }

  // ---------------------------------------------------------------- pools

  /** The number of addresses of a network, 2^(32 - bits). */
  function Size(bits: nat): (r: int)
    ensures r > 0
    decreases 32 - bits
  {
    if bits >= 32 then 1 else 2 * Size(bits + 1)
  }

  /** The number of networks of that size, 2^bits. */
  function Networks(bits: nat): (r: int)
    ensures r > 0
  {
    if bits == 0 then 1 else 2 * Networks(bits - 1)
  }

  /** A network, given by its place among the networks of its size, with the server and the client range. */
  datatype Pool = Pool(index: int, bits: nat, server: int, first: int, last: int) {
    predicate Network() {
      16 <= bits <= 30 && 0 <= index < Networks(bits)
    }

    function Base(): int { index * Size(bits) }

    function Broadcast(): int { Base() + Size(bits) - 1 }

    /** The server and every client address lie strictly between network and broadcast address. */
    predicate Sound() {
      && Network() && 0 <= Base() && Broadcast() <= MAX
      && Base() < server < Broadcast()
      && Base() < first && last < Broadcast()
    }

    predicate Admits(address: int) {
      Base() < address < Broadcast() && address != server
    }
  }

  /** `parseAWGSubnet` in 32-bit arithmetic, for a network without host bits. */
  function ParseSubnet(index: int, bits: nat): Pool {
    var base := index * Size(bits);
    Pool(index, bits, Wrapped(base + 1), Wrapped(base + 2), Wrapped(base + (Size(bits) - 2)))
  }

  /** Clearing the host bits of an address leaves the network that contains it. */
  function Masked(address: int, size: int): (index: int)
    requires 0 <= address && 0 < size
    ensures 0 <= index && index * size <= address < index * size + size
    decreases address
  {
    if address < size then 0 else 1 + Masked(address - size, size)
  }

  /** The pool that `Prepare` derives from an address, a prefix length and a server address, if it accepts them. */
  function PreparePool(address: int, bits: nat, server: int): Option<Pool>
    requires 0 <= address <= MAX
  {
    if bits < 16 || bits > 30 then None
    else
      var index := Masked(address, Size(bits));
      var from := index * Size(bits);
      var to := from + Size(bits) - 1;
      if server <= from || server >= to then None
      else Some(Pool(index, bits, server, from + 1, to - 1))
  }

  lemma HalfOfTheBits()
    ensures Size(16) == 0x1_0000 && Networks(16) == 0x1_0000 && Size(30) == 4
  {
    assert Size(30) == 4;
    assert Size(27) == 32;
    assert Size(24) == 256;
    assert Size(20) == 4096;
    assert Networks(4) == 16;
    assert Networks(8) == 256;
    assert Networks(12) == 4096;
  }

  lemma Halved(networks: int, size: int)
    ensures networks * (2 * size) == (2 * networks) * size
  {
  }

  lemma {:induction false} NetworksTileSpace(bits: nat)
    requires 16 <= bits <= 30
    ensures Networks(bits) * Size(bits) == SPACE
  {
    if bits == 16 {
      HalfOfTheBits();
    } else {
      NetworksTileSpace(bits - 1);
      Halved(Networks(bits - 1), Size(bits));
    }
  }

  lemma {:induction false} AtLeastFour(bits: nat)
    requires bits <= 30
    ensures Size(bits) >= 4
    decreases 30 - bits
  {
    if bits == 30 { HalfOfTheBits(); } else { AtLeastFour(bits + 1); }
  }

  lemma {:induction false} ScaledOrder(a: int, b: int, size: int)
    requires size > 0 && a <= b
    ensures a * size <= b * size
    ensures a < b ==> a * size + size <= b * size
    decreases b - a
  {
    if a < b {
      ScaledOrder(a, b - 1, size);
      assert (b - 1) * size + size == b * size;
    }
  }

  /** Every network lies within the address space. */
  lemma NetworkFits(index: int, bits: nat)
    requires 16 <= bits <= 30 && 0 <= index < Networks(bits)
    ensures 0 <= index * Size(bits) && index * Size(bits) + Size(bits) <= SPACE && Size(bits) >= 4
  {
    NetworksTileSpace(bits);
    AtLeastFour(bits);
    ScaledOrder(index, Networks(bits), Size(bits));
    ScaledOrder(0, index, Size(bits));
  }

  /** Two networks of one size that share an address are the same. */
  lemma NetworksAreDisjoint(a: int, b: int, size: int, address: int)
    requires size > 0 && a * size <= address < a * size + size && b * size <= address < b * size + size
    ensures a == b
  {
    if a < b { ScaledOrder(a, b, size); }
    if b < a { ScaledOrder(b, a, size); }
  }

  lemma MaskedIsNetwork(address: int, bits: nat)
    requires 16 <= bits <= 30 && 0 <= address <= MAX
    ensures 0 <= Masked(address, Size(bits)) < Networks(bits)
  {
    NetworksTileSpace(bits);
    if Networks(bits) <= Masked(address, Size(bits)) { ScaledOrder(Networks(bits), Masked(address, Size(bits)), Size(bits)); }
  }

  /** The parsed pool never wraps: network < server < first <= last < broadcast, within the address space. */
  lemma ParsedPoolIsSound(index: int, bits: nat)
    requires 16 <= bits <= 30 && 0 <= index < Networks(bits)
    ensures var p := ParseSubnet(index, bits);
            p.Sound() && p.server == p.Base() + 1 && p.first == p.Base() + 2 <= p.last == p.Broadcast() - 1 < MAX
  {
    NetworkFits(index, bits);
  }

  /** The address and the server are in one network of that size, and the server is a host of it. */
  predicate Hosts(p: Pool, bits: nat, address: int, server: int) {
    p.Network() && p.bits == bits && p.Base() <= address <= p.Broadcast() && p.Base() < server < p.Broadcast()
  }

  /** `Prepare` accepts a server address exactly if it is a host of the network, and its pool is all the hosts. */
  lemma PreparedPoolIsSound(address: int, bits: nat, server: int)
    requires 0 <= address <= MAX
    ensures PreparePool(address, bits, server).Some? <==> exists p :: Hosts(p, bits, address, server)
    ensures PreparePool(address, bits, server).Some? ==>
              var p := PreparePool(address, bits, server).value;
              p.Sound() && Hosts(p, bits, address, server) && p.first == p.Base() + 1 && p.last == p.Broadcast() - 1 < MAX
  {
    if 16 <= bits <= 30 {
      var index := Masked(address, Size(bits));
      MaskedIsNetwork(address, bits);
      NetworkFits(index, bits);
      if PreparePool(address, bits, server).Some? {
        assert Hosts(PreparePool(address, bits, server).value, bits, address, server);
      }
      forall p | Hosts(p, bits, address, server) ensures PreparePool(address, bits, server).Some? {
        NetworksAreDisjoint(p.index, index, Size(bits), address);
      }
    }
  }

  /** What the allocator hands out from a sound pool is a free host address of the network. */
  lemma AllocatedIsAdmitted(p: Pool, taken: set<int>, n: int)
    requires p.Sound() && p.server in taken && Allocation(p.first, p.last, taken, Some(n))
    ensures p.Admits(n) && n !in taken
  {
  }
}
