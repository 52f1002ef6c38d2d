/**
 * The sandbox's egress rules: built as a first-match chain, with the carve-outs before the rejections.
 */
module EgressFirewall {
  datatype Protocol = Udp | Tcp | Other

  /** A packet leaving the sandbox: the uid of its socket's owner, destination address, protocol and port. */
  datatype Packet = Packet(uid: int, destination: nat, protocol: Protocol, port: int)

  /** An address and the number of its leading bits that count. */
  datatype Range = Range(address: nat, bits: nat)

  datatype Rule =
    | Accept(range: Range, protocol: Protocol, port: int)
    | Reject(range: Range)

  datatype Endpoint = Endpoint(address: nat, port: int)

  function Address(a: nat, b: nat, c: nat, d: nat): nat { ((a * 256 + b) * 256 + c) * 256 + d }

  const BLOCKED: seq<Range> := [
    Range(Address(0, 0, 0, 0), 8),
    Range(Address(10, 0, 0, 0), 8),
    Range(Address(100, 64, 0, 0), 10),
    Range(Address(169, 254, 0, 0), 16),
    Range(Address(172, 16, 0, 0), 12),
    Range(Address(192, 0, 0, 0), 24),
    Range(Address(192, 168, 0, 0), 16),
    Range(Address(198, 18, 0, 0), 15),
    Range(Address(224, 0, 0, 0), 4),
    Range(Address(240, 0, 0, 0), 4),
    Range(Address(168, 63, 129, 16), 32)]

  function Power(n: nat): (p: nat)
    ensures p > 0
  {
    if n == 0 then 1 else 2 * Power(n - 1)
  }

  /** The leading bits of an address. */
  function Lead(address: nat, bits: nat): int
    requires bits <= 32
  {
    address / Power(32 - bits)
  }

  predicate InRange(destination: nat, r: Range)
    requires r.bits <= 32
  {
    Lead(destination, r.bits) == Lead(r.address, r.bits)
  }

  // ---------------------------------------------------------------- the chain

  predicate Matches(r: Rule, p: Packet) {
    r.range.bits <= 32 && InRange(p.destination, r.range) &&
      (r.Accept? ==> p.protocol == r.protocol && p.port == r.port)
  }

  /** The first rule that matches decides; without one the packet goes on, and is let through. */
  predicate ChainRejects(rules: seq<Rule>, p: Packet) {
    rules != [] && if Matches(rules[0], p) then rules[0].Reject? else ChainRejects(rules[1..], p)
  }

  /** Only the packets of the given user enter the chain. */
  predicate Rejects(uid: int, rules: seq<Rule>, p: Packet) { p.uid == uid && ChainRejects(rules, p) }

  function DnsRules(nameservers: seq<nat>): seq<Rule> {
    if nameservers == [] then []
    else
      var r := Range(nameservers[|nameservers| - 1], 32);
      DnsRules(nameservers[..|nameservers| - 1]) + [Accept(r, Udp, 53), Accept(r, Tcp, 53)]
  }

  function StorageRules(endpoints: seq<Endpoint>): seq<Rule> {
    if endpoints == [] then []
    else
      var e := endpoints[|endpoints| - 1];
      StorageRules(endpoints[..|endpoints| - 1]) + [Accept(Range(e.address, 32), Tcp, e.port)]
  }

  function RejectRules(ranges: seq<Range>): seq<Rule> {
    if ranges == [] then [] else RejectRules(ranges[..|ranges| - 1]) + [Reject(ranges[|ranges| - 1])]
  }

  function BuildRules(nameservers: seq<nat>, endpoints: seq<Endpoint>): seq<Rule> {
    DnsRules(nameservers) + StorageRules(endpoints) + RejectRules(BLOCKED)
  }

  /** `build_ipv4_rules`, as the loops append them. */
  method BuildIpv4Rules(nameservers: seq<nat>, endpoints: seq<Endpoint>) returns (rules: seq<Rule>)
    ensures rules == BuildRules(nameservers, endpoints)
  {
    hide DnsRules, StorageRules, RejectRules;
    rules := [];
    assert DnsRules([]) == [] && StorageRules([]) == [] && RejectRules([]) == [] by { NoRules(); }
    for i := 0 to |nameservers|
      invariant rules == DnsRules(nameservers[..i])
    {
      DnsNext(nameservers[..i], nameservers[i]);
      assert nameservers[..i + 1] == nameservers[..i] + [nameservers[i]];
      var r := Range(nameservers[i], 32);
      rules := rules + [Accept(r, Udp, 53)];
      rules := rules + [Accept(r, Tcp, 53)];
    }
    assert nameservers[..|nameservers|] == nameservers;
    ghost var dns := rules;
    for i := 0 to |endpoints|
      invariant rules == dns + StorageRules(endpoints[..i])
    {
      StorageNext(endpoints[..i], endpoints[i]);
      assert endpoints[..i + 1] == endpoints[..i] + [endpoints[i]];
      rules := rules + [Accept(Range(endpoints[i].address, 32), Tcp, endpoints[i].port)];
    }
    assert endpoints[..|endpoints|] == endpoints;
    ghost var accepts := rules;
    for i := 0 to |BLOCKED|
      invariant rules == accepts + RejectRules(BLOCKED[..i])
    {
      RejectNext(BLOCKED[..i], BLOCKED[i]);
      assert BLOCKED[..i + 1] == BLOCKED[..i] + [BLOCKED[i]];
      rules := rules + [Reject(BLOCKED[i])];
    }
    assert BLOCKED[..|BLOCKED|] == BLOCKED;
  }

  lemma NoRules()
    ensures DnsRules([]) == [] && StorageRules([]) == [] && RejectRules([]) == []
  {
  }

  lemma DnsNext(nameservers: seq<nat>, n: nat)
    ensures DnsRules(nameservers + [n]) ==
            DnsRules(nameservers) + [Accept(Range(n, 32), Udp, 53)] + [Accept(Range(n, 32), Tcp, 53)]
  {
    assert (nameservers + [n])[..|nameservers|] == nameservers;
  }

  lemma StorageNext(endpoints: seq<Endpoint>, e: Endpoint)
    ensures StorageRules(endpoints + [e]) == StorageRules(endpoints) + [Accept(Range(e.address, 32), Tcp, e.port)]
  {
    assert (endpoints + [e])[..|endpoints|] == endpoints;
  }

  lemma RejectNext(ranges: seq<Range>, r: Range)
    ensures RejectRules(ranges + [r]) == RejectRules(ranges) + [Reject(r)]
  {
    assert (ranges + [r])[..|ranges|] == ranges;
  }

  // ---------------------------------------------------------------- what the chain means

  /** DNS to one of the nameservers. */
  predicate IsDns(nameservers: seq<nat>, p: Packet) {
    p.destination in nameservers && p.port == 53 && (p.protocol == Udp || p.protocol == Tcp)
  }

  /** TCP to one of the storage endpoints. */
  predicate IsStorage(endpoints: seq<Endpoint>, p: Packet) {
    p.protocol == Tcp && Endpoint(p.destination, p.port) in endpoints
  }

  predicate InSome(ranges: seq<Range>, destination: nat) {
    exists i :: 0 <= i < |ranges| && ranges[i].bits <= 32 && InRange(destination, ranges[i])
  }

  predicate SomeMatches(rules: seq<Rule>, p: Packet) { exists i :: 0 <= i < |rules| && Matches(rules[i], p) }

  predicate AllAccept(rules: seq<Rule>) { forall i :: 0 <= i < |rules| ==> rules[i].Accept? }

  predicate AllReject(rules: seq<Rule>) { forall i :: 0 <= i < |rules| ==> rules[i].Reject? }

  /** Accepting rules first: the chain rejects what none of them matches and a rejecting one does. */
  lemma {:induction false} FirstMatchMeans(accepts: seq<Rule>, rejects: seq<Rule>, p: Packet)
    requires AllAccept(accepts) && AllReject(rejects)
    ensures ChainRejects(accepts + rejects, p) <==> !SomeMatches(accepts, p) && SomeMatches(rejects, p)
  {
    hide Matches;
    if accepts == [] {
      assert accepts + rejects == rejects;
      RejectsMean(rejects, p);
    } else {
      assert (accepts + rejects)[1..] == accepts[1..] + rejects;
      FirstMatchMeans(accepts[1..], rejects, p);
      SomeHead(accepts, p);
    }
  }

  lemma SomeHead(rules: seq<Rule>, p: Packet)
    requires rules != []
    ensures SomeMatches(rules, p) <==> Matches(rules[0], p) || SomeMatches(rules[1..], p)
  {
    hide Matches;
    assert forall i :: 0 < i < |rules| ==> rules[i] == rules[1..][i - 1];
    if SomeMatches(rules[1..], p) {
      var i :| 0 <= i < |rules[1..]| && Matches(rules[1..][i], p);
      assert Matches(rules[i + 1], p);
    }
  }

  lemma {:induction false} RejectsMean(rules: seq<Rule>, p: Packet)
    requires AllReject(rules)
    ensures ChainRejects(rules, p) <==> SomeMatches(rules, p)
  {
    hide Matches;
    if rules != [] {
      RejectsMean(rules[1..], p);
      SomeHead(rules, p);
    }
  }

  lemma SomeAppend(a: seq<Rule>, b: seq<Rule>, p: Packet)
    ensures SomeMatches(a + b, p) <==> SomeMatches(a, p) || SomeMatches(b, p)
  {
    hide Matches;
    if SomeMatches(a, p) {
      var i :| 0 <= i < |a| && Matches(a[i], p);
      assert (a + b)[i] == a[i];
    }
    if SomeMatches(b, p) {
      var i :| 0 <= i < |b| && Matches(b[i], p);
      assert (a + b)[|a| + i] == b[i];
    }
  }

  lemma OneAddress(destination: nat, address: nat)
    ensures InRange(destination, Range(address, 32)) <==> destination == address
  {
    assert Power(0) == 1;
  }

  lemma {:induction false} DnsMeans(nameservers: seq<nat>, p: Packet)
    ensures AllAccept(DnsRules(nameservers)) && (SomeMatches(DnsRules(nameservers), p) <==> IsDns(nameservers, p))
  {
    if nameservers != [] {
      var init, n := nameservers[..|nameservers| - 1], nameservers[|nameservers| - 1];
      DnsMeans(init, p);
      var added := [Accept(Range(n, 32), Udp, 53), Accept(Range(n, 32), Tcp, 53)];
      SomeAppend(DnsRules(init), added, p);
      OneAddress(p.destination, n);
      assert nameservers == init + [n];
      hide InRange, DnsRules;
      assert SomeMatches(added, p) <==> Matches(added[0], p) || Matches(added[1], p);
    }
  }

  lemma {:induction false} StorageMeans(endpoints: seq<Endpoint>, p: Packet)
    ensures AllAccept(StorageRules(endpoints)) && (SomeMatches(StorageRules(endpoints), p) <==> IsStorage(endpoints, p))
  {
    if endpoints != [] {
      var init, e := endpoints[..|endpoints| - 1], endpoints[|endpoints| - 1];
      StorageMeans(init, p);
      var added := [Accept(Range(e.address, 32), Tcp, e.port)];
      SomeAppend(StorageRules(init), added, p);
      OneAddress(p.destination, e.address);
      assert endpoints == init + [e];
      hide InRange, StorageRules;
      assert SomeMatches(added, p) <==> Matches(added[0], p);
    }
  }

  lemma {:induction false} RejectMeans(ranges: seq<Range>, p: Packet)
    ensures AllReject(RejectRules(ranges)) && |RejectRules(ranges)| == |ranges|
    ensures forall i :: 0 <= i < |ranges| ==> RejectRules(ranges)[i] == Reject(ranges[i])
  {
    if ranges != [] {
      RejectMeans(ranges[..|ranges| - 1], p);
    }
  }

  lemma RejectsInSome(ranges: seq<Range>, p: Packet)
    ensures SomeMatches(RejectRules(ranges), p) <==> InSome(ranges, p.destination)
  {
    RejectMeans(ranges, p);
    hide InRange, RejectRules;
    if InSome(ranges, p.destination) {
      var i :| 0 <= i < |ranges| && ranges[i].bits <= 32 && InRange(p.destination, ranges[i]);
      assert Matches(RejectRules(ranges)[i], p);
    }
    if SomeMatches(RejectRules(ranges), p) {
      var i :| 0 <= i < |ranges| && Matches(RejectRules(ranges)[i], p);
      assert RejectRules(ranges)[i] == Reject(ranges[i]);
    }
  }

  /**
   * The rules reject a packet exactly when its owner is the given user, its destination is in a blocked range, and it
   * is neither DNS to a listed nameserver nor TCP to a listed storage endpoint.
   */
  lemma RulesMean(uid: int, nameservers: seq<nat>, endpoints: seq<Endpoint>, p: Packet)
    ensures Rejects(uid, BuildRules(nameservers, endpoints), p) <==>
            p.uid == uid && InSome(BLOCKED, p.destination) && !IsDns(nameservers, p) && !IsStorage(endpoints, p)
  {
    DnsMeans(nameservers, p);
    StorageMeans(endpoints, p);
    RejectMeans(BLOCKED, p);
    RejectsInSome(BLOCKED, p);
    hide DnsRules, StorageRules, RejectRules, InSome, IsDns, IsStorage;
    SomeAppend(DnsRules(nameservers), StorageRules(endpoints), p);
    FirstMatchMeans(DnsRules(nameservers) + StorageRules(endpoints), RejectRules(BLOCKED), p);
  }

  /** The order of the carve-outs, and how often each is listed, does not matter. */
  lemma OrderIrrelevant(uid: int, nameservers: seq<nat>, endpoints: seq<Endpoint>, others: seq<nat>,
      more: seq<Endpoint>, p: Packet)
    requires forall n :: n in nameservers <==> n in others
    requires forall e :: e in endpoints <==> e in more
    ensures Rejects(uid, BuildRules(nameservers, endpoints), p) <==> Rejects(uid, BuildRules(others, more), p)
  {
    RulesMean(uid, nameservers, endpoints, p);
    RulesMean(uid, others, more, p);
    hide Rejects, BuildRules;
  }

  // ---------------------------------------------------------------- the blocked ranges, by their octets

  predicate Octets(a: nat, b: nat, c: nat, d: nat) { a < 256 && b < 256 && c < 256 && d < 256 }

  lemma Powers()
    ensures Power(0) == 1 && Power(8) == 0x100 && Power(16) == 0x1_0000 && Power(17) == 0x2_0000
    ensures Power(20) == 0x10_0000 && Power(22) == 0x40_0000 && Power(24) == 0x100_0000 && Power(28) == 0x1000_0000
  {
    assert Power(4) == 16;
    assert Power(8) == 0x100;
    assert Power(12) == 0x1000;
    assert Power(16) == 0x1_0000;
    assert Power(20) == 0x10_0000;
    assert Power(24) == 0x100_0000;
    assert Power(28) == 0x1000_0000;
  }

  /** Private, shared, link-local, test, multicast and reserved addresses, this network, and Azure's host endpoint. */
  predicate BlockedOctets(a: nat, b: nat, c: nat, d: nat) {
    || a == 0 || a == 10
    || (a == 100 && 64 <= b < 128)
    || (a == 169 && b == 254)
    || (a == 172 && 16 <= b < 32)
    || (a == 192 && b == 0 && c == 0)
    || (a == 192 && b == 168)
    || (a == 198 && (b == 18 || b == 19))
    || a >= 224
    || (a == 168 && b == 63 && c == 129 && d == 16)
  }

  lemma Quotient(x: nat, m: nat, q: nat, r: nat)
    requires r < m && x == q * m + r
    ensures x / m == q
  {
    var k := x / m;
    assert x == k * m + x % m;
    if k < q {
      MoreTimes(k, q, m);
    }
    if q < k {
      MoreTimes(q, k, m);
    }
  }

  lemma MoreTimes(k: nat, q: nat, m: nat)
    requires k < q
    ensures k * m + m <= q * m
  {
    assert (k + 1) * m <= q * m;
  }

  /** The leading octets, and parts of them, as quotients. */
  lemma Quotients(a: nat, b: nat, c: nat, d: nat)
    requires Octets(a, b, c, d)
    ensures Address(a, b, c, d) / 0x1000_0000 == a / 16
    ensures Address(a, b, c, d) / 0x100_0000 == a
    ensures Address(a, b, c, d) / 0x40_0000 == a * 4 + b / 64
    ensures Address(a, b, c, d) / 0x10_0000 == a * 16 + b / 16
    ensures Address(a, b, c, d) / 0x2_0000 == a * 128 + b / 2
    ensures Address(a, b, c, d) / 0x1_0000 == a * 256 + b
    ensures Address(a, b, c, d) / 0x100 == (a * 256 + b) * 256 + c
  {
    var x := Address(a, b, c, d);
    Quotient(x, 0x100, (a * 256 + b) * 256 + c, d);
    Quotient(x, 0x1_0000, a * 256 + b, c * 256 + d);
    Quotient(x, 0x100_0000, a, (b * 256 + c) * 256 + d);
    Quotient(x, 0x2_0000, a * 128 + b / 2, ((b % 2) * 256 + c) * 256 + d);
    Quotient(x, 0x10_0000, a * 16 + b / 16, ((b % 16) * 256 + c) * 256 + d);
    Quotient(x, 0x40_0000, a * 4 + b / 64, ((b % 64) * 256 + c) * 256 + d);
    Quotient(x, 0x1000_0000, a / 16, (((a % 16) * 256 + b) * 256 + c) * 256 + d);
  }

  lemma OctetsDiffer(a: nat, b: nat, c: nat, d: nat, w: nat, x: nat, y: nat, z: nat)
    requires Octets(a, b, c, d) && Octets(w, x, y, z)
    ensures Address(a, b, c, d) == Address(w, x, y, z) <==> a == w && b == x && c == y && d == z
  {
    Quotients(a, b, c, d);
    Quotients(w, x, y, z);
  }

  /** Two numbers in mixed base agree exactly if their digits do. */
  lemma Digits(a: nat, b: nat, w: nat, x: nat, base: nat)
    requires b < base && x < base
    ensures a * base + b == w * base + x <==> a == w && b == x
  {
    if a < w {
      MoreTimes(a, w, base);
    }
    if w < a {
      MoreTimes(w, a, base);
    }
  }

  lemma Leads(a: nat, b: nat, c: nat, d: nat)
    requires Octets(a, b, c, d)
    ensures var t := Address(a, b, c, d);
            && Lead(t, 4) == a / 16 && Lead(t, 8) == a
            && Lead(t, 10) == a * 4 + b / 64 && Lead(t, 12) == a * 16 + b / 16
            && Lead(t, 15) == a * 128 + b / 2 && Lead(t, 16) == a * 256 + b && Lead(t, 24) == (a * 256 + b) * 256 + c
  {
    hide Power, Address;
    Powers();
    Quotients(a, b, c, d);
  }

  lemma InOctets(a: nat, b: nat, c: nat, d: nat, w: nat, x: nat, y: nat, z: nat)
    requires Octets(a, b, c, d) && Octets(w, x, y, z)
    ensures var t, u := Address(a, b, c, d), Address(w, x, y, z);
            && (InRange(t, Range(u, 4)) <==> a / 16 == w / 16)
            && (InRange(t, Range(u, 8)) <==> a == w)
            && (InRange(t, Range(u, 10)) <==> a == w && b / 64 == x / 64)
            && (InRange(t, Range(u, 12)) <==> a == w && b / 16 == x / 16)
            && (InRange(t, Range(u, 15)) <==> a == w && b / 2 == x / 2)
            && (InRange(t, Range(u, 16)) <==> a == w && b == x)
            && (InRange(t, Range(u, 24)) <==> a == w && b == x && c == y)
            && (InRange(t, Range(u, 32)) <==> a == w && b == x && c == y && d == z)
  {
    hide Lead, Address;
    Leads(a, b, c, d);
    Leads(w, x, y, z);
    OctetsDiffer(a, b, c, d, w, x, y, z);
    OneAddress(Address(a, b, c, d), Address(w, x, y, z));
    Digits(a, b / 64, w, x / 64, 4);
    Digits(a, b / 16, w, x / 16, 16);
    Digits(a, b / 2, w, x / 2, 128);
    Digits(a, b, w, x, 256);
    Digits(a * 256 + b, c, w * 256 + x, y, 256);
  }

  /** The blocked ranges are these addresses. */
  lemma BlockedAre(a: nat, b: nat, c: nat, d: nat)
    requires Octets(a, b, c, d)
    ensures InSome(BLOCKED, Address(a, b, c, d)) <==> BlockedOctets(a, b, c, d)
  {
    hide Address, InRange;
    InOctets(a, b, c, d, 0, 0, 0, 0);
    InOctets(a, b, c, d, 10, 0, 0, 0);
    InOctets(a, b, c, d, 100, 64, 0, 0);
    InOctets(a, b, c, d, 169, 254, 0, 0);
    InOctets(a, b, c, d, 172, 16, 0, 0);
    InOctets(a, b, c, d, 192, 0, 0, 0);
    InOctets(a, b, c, d, 192, 168, 0, 0);
    InOctets(a, b, c, d, 198, 18, 0, 0);
    InOctets(a, b, c, d, 224, 0, 0, 0);
    InOctets(a, b, c, d, 240, 0, 0, 0);
    InOctets(a, b, c, d, 168, 63, 129, 16);
    var t := Address(a, b, c, d);
    assert InSome(BLOCKED, t) <==>
           || InRange(t, BLOCKED[0]) || InRange(t, BLOCKED[1]) || InRange(t, BLOCKED[2]) || InRange(t, BLOCKED[3])
           || InRange(t, BLOCKED[4]) || InRange(t, BLOCKED[5]) || InRange(t, BLOCKED[6]) || InRange(t, BLOCKED[7])
           || InRange(t, BLOCKED[8]) || InRange(t, BLOCKED[9]) || InRange(t, BLOCKED[10]);
  }
}
