/**
 Which switch owns an IPv4 address: the switch of the longest eligible network
 that contains it, unless two switches share that length.
 */
module Resolution {
  import opened Wrappers

  // The text of a network's CIDR, as far as resolution depends on it.
  datatype Cidr = Ipv4Prefix(base: nat, bits: nat) | UnusableCidr

  // The requested address: one canonical IPv4 address, or anything else.
  datatype Address = Ipv4(value: nat) | NotOneIpv4

  datatype Network = Network(id: string, switchId: string, cidr: Cidr,
                             enabled: bool, validated: bool, switchEnabled: bool)

  datatype Resolution = Resolved(network: Network) | InvalidIp | NoSwitch | Ambiguous

  function Pow2(n: nat): (p: nat)
    ensures p > 0
  {
    if n == 0 then 1 else 2 * Pow2(n - 1)
  }

  // The prefix and the address agree on the prefix's leading bits.
  predicate Contains(cidr: Cidr, ip: nat) {
    && cidr.Ipv4Prefix? && cidr.bits <= 32
    && cidr.base / Pow2(32 - cidr.bits) == ip / Pow2(32 - cidr.bits)
  }

  predicate Eligible(n: Network, ip: nat) {
    n.enabled && n.validated && n.switchEnabled && Contains(n.cidr, ip)
  }

  // ---------- Specification ----------

  // An eligible network no eligible network is more specific than.
  ghost predicate IsLongest(networks: seq<Network>, ip: nat, n: Network) {
    && n in networks && Eligible(n, ip)
    && forall m :: m in networks && Eligible(m, ip) ==> m.cidr.bits <= n.cidr.bits
  }

  ghost predicate OwnsAlone(networks: seq<Network>, ip: nat, switchId: string) {
    && (exists n :: IsLongest(networks, ip, n))
    && forall n :: IsLongest(networks, ip, n) ==> n.switchId == switchId
  }

  // ---------- The scan ----------

  datatype Scan = Scan(best: int, selected: Option<Network>, ambiguous: bool)

  function Step(s: Scan, n: Network, ip: nat): Scan {
    if !Eligible(n, ip) then s
    else if n.cidr.bits > s.best then Scan(n.cidr.bits, Some(n), false)
    else if n.cidr.bits == s.best && s.selected.Some? && n.switchId != s.selected.value.switchId then s.(ambiguous := true)
    else s
  }

  function ScanAll(networks: seq<Network>, ip: nat): Scan {
    if |networks| == 0 then Scan(-1, None, false)
    else Step(ScanAll(networks[..|networks| - 1], ip), networks[|networks| - 1], ip)
  }

  function Resolve(address: Address, networks: seq<Network>): Resolution {
    if address.NotOneIpv4? then InvalidIp
    else
      var s := ScanAll(networks, address.value);
      if s.best < 0 || s.selected.None? then NoSwitch
      else if s.ambiguous then Ambiguous
      else Resolved(s.selected.value)
  }

  method ResolveNetwork(address: Address, networks: seq<Network>) returns (r: Resolution)
    ensures r == Resolve(address, networks)
  {
    if address.NotOneIpv4? {
      return InvalidIp;
    }
    var best: int, selected, ambiguous := -1, None, false;
    for i := 0 to |networks|
      invariant Scan(best, selected, ambiguous) == ScanAll(networks[..i], address.value)
      invariant selected.None? <==> best < 0
    {
      assert networks[..i + 1][..i] == networks[..i];
      var network := networks[i];
      if !network.enabled || !network.validated || !network.switchEnabled {
        continue;
      }
      if !Contains(network.cidr, address.value) {
        continue;
      }
      if network.cidr.bits > best {
        best, selected, ambiguous := network.cidr.bits, Some(network), false;
      } else if network.cidr.bits == best && network.switchId != selected.value.switchId {
        ambiguous := true;
      }
    }
    assert networks[..|networks|] == networks;
    if best < 0 {
      return NoSwitch;
    }
    if ambiguous {
      return Ambiguous;
    }
    return Resolved(selected.value);
  }

  // ---------- The scan meets the specification ----------

  // What the scan knows about the networks it has seen.
  ghost predicate ScanMeans(s: Scan, networks: seq<Network>, ip: nat) {
    && (forall m :: m in networks && Eligible(m, ip) ==> 0 <= m.cidr.bits <= s.best)
    && (s.selected.None? <==> s.best < 0)
    && (s.selected.Some? ==>
          && s.selected.value in networks && Eligible(s.selected.value, ip) && s.selected.value.cidr.bits == s.best)
    && (s.ambiguous <==> exists m :: m in networks && Eligible(m, ip) && m.cidr.bits == s.best
                                     && s.selected.Some? && m.switchId != s.selected.value.switchId)
  }

  lemma {:induction false} ScanIsLongest(networks: seq<Network>, ip: nat)
    ensures ScanMeans(ScanAll(networks, ip), networks, ip)
  {
    if |networks| > 0 {
      var rest, n := networks[..|networks| - 1], networks[|networks| - 1];
      ScanIsLongest(rest, ip);
      var s, s' := ScanAll(rest, ip), ScanAll(networks, ip);
      assert forall m :: m in networks <==> m in rest || m == n;
      if s.ambiguous && s' == s {
        var m :| m in rest && Eligible(m, ip) && m.cidr.bits == s.best
                 && s.selected.Some? && m.switchId != s.selected.value.switchId;
        assert m in networks;
      }
    }
  }

  // The three outcomes for a valid address, each exactly characterised.
  lemma ResolveMeetsSpec(ip: nat, networks: seq<Network>)
    ensures Resolve(Ipv4(ip), networks) == NoSwitch <==> !exists n :: n in networks && Eligible(n, ip)
    ensures Resolve(Ipv4(ip), networks) == Ambiguous <==>
            exists n, m :: IsLongest(networks, ip, n) && IsLongest(networks, ip, m) && n.switchId != m.switchId
    ensures Resolve(Ipv4(ip), networks).Resolved? ==>
              IsLongest(networks, ip, Resolve(Ipv4(ip), networks).network)
    ensures forall switchId :: OwnsAlone(networks, ip, switchId) <==>
              (Resolve(Ipv4(ip), networks).Resolved? && Resolve(Ipv4(ip), networks).network.switchId == switchId)
  {
    ScanIsLongest(networks, ip);
    var s := ScanAll(networks, ip);
    if s.selected.Some? {
      assert IsLongest(networks, ip, s.selected.value);
      if s.ambiguous {
        var m :| m in networks && Eligible(m, ip) && m.cidr.bits == s.best && m.switchId != s.selected.value.switchId;
        assert IsLongest(networks, ip, m);
      }
    }
  }

  // What a caller may rely on: the kind of outcome, and the switch when there is one.
  predicate SameVerdict(r: Resolution, r': Resolution) {
    if r.Resolved? && r'.Resolved? then r.network.switchId == r'.network.switchId else r == r'
  }

  // The order in which the networks are listed does not matter.
  lemma OrderDoesNotMatter(address: Address, networks: seq<Network>, networks': seq<Network>)
    requires multiset(networks) == multiset(networks')
    ensures SameVerdict(Resolve(address, networks), Resolve(address, networks'))
  {
    assert forall n :: n in networks <==> n in multiset(networks);
    assert forall n :: n in networks' <==> n in multiset(networks');
    if address.Ipv4? {
      var ip := address.value;
      assert forall n :: IsLongest(networks, ip, n) <==> IsLongest(networks', ip, n);
      ResolveMeetsSpec(ip, networks);
      ResolveMeetsSpec(ip, networks');
      var r := Resolve(address, networks);
      if r.Resolved? {
        assert OwnsAlone(networks, ip, r.network.switchId);
        assert OwnsAlone(networks', ip, r.network.switchId);
      }
    }
  }

  // ---------- Containment ----------

  // The q-th interval of addresses of this size covers an address.
  predicate Covers(q: int, size: int, ip: int) {
    q * size <= ip < q * size + size
  }

  lemma Powers()
    ensures Pow2(0) == 1 && Pow2(8) == 256 && Pow2(16) == 65536 && Pow2(24) == 16777216 && Pow2(32) == 4294967296
  {
    assert Pow2(4) == 16 && Pow2(8) == 256;
    assert Pow2(12) == 4096 && Pow2(16) == 65536;
    assert Pow2(20) == 1048576 && Pow2(24) == 16777216;
    assert Pow2(28) == 268435456 && Pow2(32) == 4294967296;
  }

  // An address is contained exactly when one interval of addresses, of 2 to the power of the bits left and
  // aligned to its size, covers both it and the base of the prefix.
  lemma ContainsMeans(base: nat, bits: nat, ip: nat, size: int)
    requires bits <= 32 && size == Pow2(32 - bits)
    ensures Contains(Ipv4Prefix(base, bits), ip) <==> exists q: int :: Covers(q, size, base) && Covers(q, size, ip)
  {
    assert Contains(Ipv4Prefix(base, bits), ip) <==> base / size == ip / size;
    SharedInterval(size, base, ip);
    hide Pow2, Covers, Contains;
  }

  lemma SharedInterval(size: int, a: int, b: int)
    requires size > 0
    ensures a / size == b / size <==> exists q: int :: Covers(q, size, a) && Covers(q, size, b)
  {
    hide Covers;
    CoversMeans(a / size, size, a);
    CoversMeans(a / size, size, b);
    if q: int :| Covers(q, size, a) && Covers(q, size, b) {
      CoversMeans(q, size, a);
      CoversMeans(q, size, b);
    }
  }

  lemma CoversMeans(q: int, size: int, n: int)
    requires size > 0
    ensures Covers(q, size, n) <==> n / size == q
  {
    var d := n / size - q;
    assert d * size == (n - n % size) - q * size;
    assert d >= 1 ==> d * size >= size;
    assert d <= -1 ==> d * size <= 0 - size;
  }

  // A whole address only contains itself, and the empty prefix contains every address.
  lemma ContainsEnds(base: nat, ip: nat)
    ensures Contains(Ipv4Prefix(base, 32), ip) <==> base == ip
    ensures base < 4294967296 && ip < 4294967296 ==> Contains(Ipv4Prefix(base, 0), ip)
  {
    Powers();
  }
}
