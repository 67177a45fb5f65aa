/** The network sources of network.go: cumulative byte counters summed over the interfaces whose
    names mark them as physical Ethernet devices. The per-interface counter query
    (`net.IOCounters(true)`) is an input; the `uint64` total wraps modulo 2^64. */
module Network {
  import opened Common
  import Decimal

  const U64: nat := 0x1_0000_0000_0000_0000

  /** One entry of the counter query: an interface and its cumulative byte counters. */
  datatype IOCounter = IOCounter(name: string, bytesSent: nat, bytesRecv: nat)

  datatype Direction = Sent | Received

  function Bytes(c: IOCounter, dir: Direction): nat {
    match dir
    case Sent => c.bytesSent
    case Received => c.bytesRecv
  }

  /** `strings.HasPrefix(s, p)`. */
  predicate HasPrefix(s: string, p: string) {
    |p| <= |s| && s[..|p|] == p
  }

  /** `isPhysicalEthernetInterface`: the name starts with "eth" or "enp". */
  predicate IsPhysicalEthernetInterface(name: string) {
    HasPrefix(name, "eth") || HasPrefix(name, "enp")
  }

  /** Ethernet names pass; loopback, container bridges, virtual pairs, tunnels and wireless do not. */
  lemma InterfaceFilterExamples()
    ensures IsPhysicalEthernetInterface("eth0") && IsPhysicalEthernetInterface("enp3s0")
    ensures !IsPhysicalEthernetInterface("lo") && !IsPhysicalEthernetInterface("docker0")
    ensures !IsPhysicalEthernetInterface("veth1234") && !IsPhysicalEthernetInterface("tun0")
    ensures !IsPhysicalEthernetInterface("wlan0") && !IsPhysicalEthernetInterface("en")
  {
    assert "eth0"[..3] == "eth";
    assert "enp3s0"[..3] == "enp";
    assert "docker0"[0] != 'e';
    assert "veth1234"[0] != 'e';
    assert "tun0"[0] != 'e';
    assert "wlan0"[0] != 'e';
  }

  /** What one interface adds to the total: its counter if it passes the filter, nothing otherwise. */
  function Contribution(c: IOCounter, dir: Direction): nat {
    if IsPhysicalEthernetInterface(c.name) then Bytes(c, dir) else 0
  }

  /** The exact (unwrapped) sum of the counters of the physical interfaces. */
  function PhysicalTotal(stats: seq<IOCounter>, dir: Direction): nat {
    if stats == [] then 0
    else PhysicalTotal(stats[..|stats| - 1], dir) + Contribution(stats[|stats| - 1], dir)
  }

  /** The exact sum of the counters of all entries, whatever their names. */
  function TotalBytes(stats: seq<IOCounter>, dir: Direction): nat {
    if stats == [] then 0
    else TotalBytes(stats[..|stats| - 1], dir) + Bytes(stats[|stats| - 1], dir)
  }

  lemma {:induction false} PhysicalTotalAppend(a: seq<IOCounter>, b: seq<IOCounter>, dir: Direction)
    ensures PhysicalTotal(a + b, dir) == PhysicalTotal(a, dir) + PhysicalTotal(b, dir)
    decreases |b|
  {
    if b == [] {
      assert a + b == a;
    } else {
      var n := |b| - 1;
      assert (a + b)[..|a + b| - 1] == a + b[..n];
      PhysicalTotalAppend(a, b[..n], dir);
    }
  }

  /** Taking one entry out of the query takes exactly its contribution off the total. */
  lemma PhysicalTotalRemove(t: seq<IOCounter>, j: nat, dir: Direction)
    requires j < |t|
    ensures PhysicalTotal(t, dir) == PhysicalTotal(t[..j] + t[j + 1..], dir) + Contribution(t[j], dir)
  {
    assert t == t[..j] + [t[j]] + t[j + 1..];
    PhysicalTotalAppend(t[..j] + [t[j]], t[j + 1..], dir);
    PhysicalTotalAppend(t[..j], [t[j]], dir);
    PhysicalTotalAppend(t[..j], t[j + 1..], dir);
    assert [t[j]][..0] == [];
  }

  /** Removing one occurrence of `x` from two orderings of the same entries leaves two
      orderings of the same entries. */
  lemma RemoveKeepsMultiset(s: seq<IOCounter>, t: seq<IOCounter>, j: nat)
    requires |s| > 0 && j < |t| && t[j] == s[|s| - 1]
    requires multiset(s) == multiset(t)
    ensures multiset(s[..|s| - 1]) == multiset(t[..j] + t[j + 1..])
  {
    var n := |s| - 1;
    var x := s[n];
    assert s == s[..n] + [x];
    assert t == t[..j] + [x] + t[j + 1..];
    assert multiset(s) == multiset(s[..n]) + multiset{x};
    assert multiset(t) == multiset(t[..j]) + multiset{x} + multiset(t[j + 1..]);
    assert multiset(t[..j] + t[j + 1..]) == multiset(t[..j]) + multiset(t[j + 1..]);
    assert multiset(s[..n]) == multiset(s) - multiset{x};
    assert multiset(t[..j] + t[j + 1..]) == multiset(t) - multiset{x};
  }

  /** The total does not depend on the order in which the query lists the interfaces. */
  lemma {:induction false} PhysicalTotalOrderIndependent(s: seq<IOCounter>, t: seq<IOCounter>, dir: Direction)
    requires multiset(s) == multiset(t)
    ensures PhysicalTotal(s, dir) == PhysicalTotal(t, dir)
    decreases |s|
  {
    if s == [] {
      assert |t| == |multiset(t)| == 0;
    } else {
      var n := |s| - 1;
      assert s[n] in multiset(t);
      var j :| 0 <= j < |t| && t[j] == s[n];
      RemoveKeepsMultiset(s, t, j);
      PhysicalTotalOrderIndependent(s[..n], t[..j] + t[j + 1..], dir);
      PhysicalTotalRemove(t, j, dir);
    }
  }

  /** An interface that fails the filter, wherever the query lists it, changes nothing. */
  lemma NonPhysicalIgnored(a: seq<IOCounter>, c: IOCounter, b: seq<IOCounter>, dir: Direction)
    requires !IsPhysicalEthernetInterface(c.name)
    ensures PhysicalTotal(a + [c] + b, dir) == PhysicalTotal(a + b, dir)
  {
    PhysicalTotalAppend(a + [c], b, dir);
    PhysicalTotalAppend(a, [c], dir);
    PhysicalTotalAppend(a, b, dir);
    assert [c][..0] == [];
  }

  lemma ModAdd(t: nat, c: nat)
    ensures (t % U64 + c) % U64 == (t + c) % U64
  {
    var q := t / U64;
    assert t == q * U64 + t % U64;
    assert t + c == (t % U64 + c) + q * U64;
  }

  /** The accumulation loop shared by `GetNetworkBytesSent` and `GetNetworkBytesReceived`:
      the `uint64` sum, wrapping modulo 2^64, of the counters of the physical interfaces. */
  method TotalPhysicalBytes(stats: seq<IOCounter>, dir: Direction) returns (total: nat)
    ensures total == PhysicalTotal(stats, dir) % U64
  {
    total := 0;
    var i := 0;
    while i < |stats|
      invariant 0 <= i <= |stats|
      invariant total == PhysicalTotal(stats[..i], dir) % U64
    {
      assert stats[..i + 1][..i] == stats[..i];
      ModAdd(PhysicalTotal(stats[..i], dir), Contribution(stats[i], dir));
      if IsPhysicalEthernetInterface(stats[i].name) {
        total := (total + Bytes(stats[i], dir)) % U64;
      }
      i := i + 1;
    }
    assert stats[..|stats|] == stats;
  }

  /** `GetNetworkBytesSent`: on a failed query, 0 together with the query's error. */
  method GetNetworkBytesSent(q: Outcome<seq<IOCounter>>) returns (r: Outcome<nat>)
    ensures !q.Ok() ==> r == Outcome(0, q.err)
    ensures q.Ok() ==> r == Outcome(PhysicalTotal(q.value, Sent) % U64, None)
  {
    if !q.Ok() {
      return Outcome(0, q.err);
    }
    var total := TotalPhysicalBytes(q.value, Sent);
    r := Outcome(total, None);
  }

  /** `GetNetworkBytesReceived`: on a failed query, 0 together with the query's error. */
  method GetNetworkBytesReceived(q: Outcome<seq<IOCounter>>) returns (r: Outcome<nat>)
    ensures !q.Ok() ==> r == Outcome(0, q.err)
    ensures q.Ok() ==> r == Outcome(PhysicalTotal(q.value, Received) % U64, None)
  {
    if !q.Ok() {
      return Outcome(0, q.err);
    }
    var total := TotalPhysicalBytes(q.value, Received);
    r := Outcome(total, None);
  }

  /** What the collect function of a network metric yields: the base-10 rendering of the
      wrapped total, or the empty string with the query's error. */
  function CollectedBytes(q: Outcome<seq<IOCounter>>, dir: Direction): Outcome<string> {
    if q.Ok() then Outcome(Decimal.FormatUint(PhysicalTotal(q.value, dir) % U64), None)
    else Outcome("", q.err)
  }

  /** A published counter reads back as the wrapped total of the physical interfaces. */
  lemma CollectedBytesReadsBack(q: Outcome<seq<IOCounter>>, dir: Direction)
    requires q.Ok()
    ensures CollectedBytes(q, dir).Ok()
    ensures Decimal.IsDigits(CollectedBytes(q, dir).value)
    ensures Decimal.DigitsValue(CollectedBytes(q, dir).value) == PhysicalTotal(q.value, dir) % U64
  {
    Decimal.FormatUintRoundTrip(PhysicalTotal(q.value, dir) % U64);
  }

  /** The collect closure of `NewNetworkSentMetric` and `NewNetworkReceivedMetric`. */
  method CollectBytes(q: Outcome<seq<IOCounter>>, dir: Direction) returns (r: Outcome<string>)
    ensures r == CollectedBytes(q, dir)
  {
    var bytes: Outcome<nat>;
    if dir.Sent? {
      bytes := GetNetworkBytesSent(q);
    } else {
      bytes := GetNetworkBytesReceived(q);
    }
    if !bytes.Ok() {
      return Outcome("", bytes.err);
    }
    r := Outcome(Decimal.FormatUint(bytes.value), None);
  }
}
