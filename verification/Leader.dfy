/**
 * Neighbourhood leaders: nodes are grouped into windows of the configured size, and the
 * lowest alive node of a window leads it. Collective tasks are forwarded to the leader.
 */
module Leader {
  import opened Words

  datatype Host = Host(node: u64, alive: bool)

  const NONE: u64 := U64 - 1   // the search starts from the largest 64-bit value

  function Base(node: u64, n: nat): u64
    requires n >= 1
    ensures Base(node, n) <= node < Base(node, n) + n
  {
    assert node == n * (node / n) + node % n;
    (node / n) * n
  }

  /** The window of `node` reaches past the largest 64-bit value, so its end wraps around. */
  predicate Wraps(node: u64, n: nat)
    requires n >= 1
  {
    Base(node, n) + n >= U64
  }

  /** An alive host between the start of the window of `node` and its (possibly wrapped) end. */
  predicate Candidate(h: Host, node: u64, n: nat)
    requires n >= 1
  {
    h.alive && Base(node, n) <= h.node < (Base(node, n) + n) % U64
  }

  /** The lowest candidate, or the node itself. */
  ghost predicate Leads(l: u64, node: u64, n: nat, hosts: seq<Host>)
    requires n >= 1
  {
    if exists i :: 0 <= i < |hosts| && Candidate(hosts[i], node, n) then
      && (exists i :: 0 <= i < |hosts| && Candidate(hosts[i], node, n) && hosts[i].node == l)
      && (forall i :: 0 <= i < |hosts| && Candidate(hosts[i], node, n) ==> l <= hosts[i].node)
    else l == node
  }

  /** An alive host with a number from `base` up to but excluding `end`. */
  predicate Within(h: Host, base: u64, end: u64) { h.alive && base <= h.node < end }

  /** The scan over the host table; the largest 64-bit value stands for "none found". */
  method Lowest(base: u64, end: u64, hosts: seq<Host>) returns (l: u64)
    ensures l != NONE ==> exists j :: 0 <= j < |hosts| && Within(hosts[j], base, end) && hosts[j].node == l
    ensures forall j :: 0 <= j < |hosts| && Within(hosts[j], base, end) ==> l <= hosts[j].node
  {
    l := NONE;
    for i := 0 to |hosts|
      invariant l != NONE ==> exists j :: 0 <= j < i && Within(hosts[j], base, end) && hosts[j].node == l
      invariant forall j :: 0 <= j < i && Within(hosts[j], base, end) ==> l <= hosts[j].node
    {
      if hosts[i].alive && hosts[i].node >= base && hosts[i].node < end && hosts[i].node < l {
        l := hosts[i].node;
      }
    }
  }

  method FindLeader(node: u64, configured: u32, hosts: seq<Host>) returns (l: u64)
    ensures configured > 0 ==> Leads(l, node, configured, hosts)
    ensures configured == 0 ==> Leads(l, node, 1, hosts)
  {
    var n: nat := if configured == 0 then 1 else configured;
    var base: u64 := (node / n) * n;
    var end: u64 := (base + n) % U64;
    l := Lowest(base, end, hosts);
    SameWindow(node, n, base, end, hosts);
    if l == NONE { l := node; }
  }

  lemma SameWindow(node: u64, n: nat, base: u64, end: u64, hosts: seq<Host>)
    requires n >= 1 && base == Base(node, n) && end == (base + n) % U64
    ensures forall j :: 0 <= j < |hosts| ==> (Within(hosts[j], base, end) <==> Candidate(hosts[j], node, n))
  {
  }

  ghost predicate HasCandidate(node: u64, n: nat, hosts: seq<Host>)
    requires n >= 1
  {
    exists i :: 0 <= i < |hosts| && Candidate(hosts[i], node, n)
  }

  /** Candidates are the alive hosts of the window, unless the end of the window wraps: then there are none. */
  lemma CandidatesAreTheAlive(h: Host, node: u64, n: nat)
    requires n >= 1 && n < U64
    ensures Candidate(h, node, n) <==> h.alive && !Wraps(node, n) && Base(h.node, n) == Base(node, n)
  {
    var b := Base(node, n);
    if b + n < U64 {
      if b <= h.node < b + n { InWindow(h.node, node, n); }
    } else {
      assert (b + n) % U64 == b + n - U64;
    }
  }

  lemma InWindow(x: u64, node: u64, n: nat)
    requires n >= 1 && Base(node, n) <= x < Base(node, n) + n
    ensures Base(x, n) == Base(node, n)
  {
    Quotient(x, node / n, n);
  }

  lemma Quotient(x: nat, k: nat, n: nat)
    requires n >= 1 && k * n <= x < k * n + n
    ensures x / n == k
  {
    assert x == n * (x / n) + x % n;
    if x / n < k { Scale(x / n + 1, k, n); assert false; }
    if x / n > k { Scale(k + 1, x / n, n); assert false; }
  }

  lemma Scale(a: nat, b: nat, n: nat)
    requires a <= b
    ensures a * n <= b * n
  {
  }

  lemma LeaderUnique(l: u64, m: u64, node: u64, n: nat, hosts: seq<Host>)
    requires n >= 1 && Leads(l, node, n, hosts) && Leads(m, node, n, hosts)
    ensures l == m
  {
  }

  lemma SameCandidates(x: u64, y: u64, n: nat, hosts: seq<Host>)
    requires n >= 1 && Base(x, n) == Base(y, n)
    ensures HasCandidate(x, n, hosts) == HasCandidate(y, n, hosts)
  {
    if HasCandidate(x, n, hosts) {
      var i :| 0 <= i < |hosts| && Candidate(hosts[i], x, n);
      assert Candidate(hosts[i], y, n);
    }
    if HasCandidate(y, n, hosts) {
      var i :| 0 <= i < |hosts| && Candidate(hosts[i], y, n);
      assert Candidate(hosts[i], x, n);
    }
  }

  /** All nodes of a window with a candidate get the same leader. */
  lemma LeadersAgree(l: u64, x: u64, m: u64, y: u64, n: nat, hosts: seq<Host>)
    requires n >= 1 && Base(x, n) == Base(y, n) && HasCandidate(x, n, hosts)
    requires Leads(l, x, n, hosts) && Leads(m, y, n, hosts)
    ensures l == m
  {
    SameCandidates(x, y, n, hosts);
    var i :| 0 <= i < |hosts| && Candidate(hosts[i], x, n) && hosts[i].node == l;
    var j :| 0 <= j < |hosts| && Candidate(hosts[j], y, n) && hosts[j].node == m;
    assert Candidate(hosts[i], y, n) && Candidate(hosts[j], x, n);
  }

  /** The leader of a leader is itself. */
  lemma LeaderIdempotent(l: u64, x: u64, m: u64, n: nat, hosts: seq<Host>)
    requires n >= 1 && Leads(l, x, n, hosts) && Leads(m, l, n, hosts)
    ensures m == l
  {
    if HasCandidate(x, n, hosts) {
      var i :| 0 <= i < |hosts| && Candidate(hosts[i], x, n) && hosts[i].node == l;
      InWindow(l, x, n);
      LeadersAgree(l, x, m, l, n, hosts);
    } else {
      LeaderUnique(l, m, x, n, hosts);
    }
  }

  ghost predicate Agreed(x: u64, n: nat, hosts: seq<Host>)
    requires n >= 1
  {
    forall y: u64, l: u64, m: u64 ::
      Base(y, n) == Base(x, n) && Leads(l, x, n, hosts) && Leads(m, y, n, hosts) ==> l == m
  }

  /**
   * The nodes of a window agree on their leader exactly if the window has a candidate, or is a
   * single node. (With no candidate every node takes itself.)
   */
  lemma AgreementIff(x: u64, n: nat, hosts: seq<Host>)
    requires n >= 1
    ensures Agreed(x, n, hosts) <==> HasCandidate(x, n, hosts) || n == 1 || Base(x, n) == U64 - 1
  {
    var b := Base(x, n);
    if HasCandidate(x, n, hosts) {
      forall y: u64, l: u64, m: u64 | Base(y, n) == b && Leads(l, x, n, hosts) && Leads(m, y, n, hosts) ensures l == m {
        LeadersAgree(l, x, m, y, n, hosts);
      }
    } else if n == 1 || b == U64 - 1 {
      forall y: u64, l: u64, m: u64 | Base(y, n) == b && Leads(l, x, n, hosts) && Leads(m, y, n, hosts) ensures l == m {
        assert y == x;
        LeaderUnique(l, m, x, n, hosts);
      }
    } else {
      var y: u64 := if x == b then b + 1 else b;
      InWindow(y, x, n);
      SameCandidates(x, y, n, hosts);
      assert Leads(x, x, n, hosts) && Leads(y, y, n, hosts);
    }
  }

  /** The last two nodes form a window, both are alive, and each takes itself for the leader. */
  lemma LastWindowDisagrees()
    ensures
      var hosts := [Host(U64 - 2, true), Host(U64 - 1, true)];
      && Base(U64 - 2, 2) == Base(U64 - 1, 2) && Leads(U64 - 2, U64 - 2, 2, hosts) && Leads(U64 - 1, U64 - 1, 2, hosts)
  {
  }

  // ----------------------------------------------------------------------------- routing

  /** Either the task is parked in the local batch, or it is sent to a node. */
  datatype Hop = Parked | Forwarded(to: u32)

  /** The address a task for node `l` is sent to. */
  function Address(l: u64): u32 { l % U32 }

  lemma AddressFits(l: u64)
    ensures Address(l) == l <==> l < U32
  {
  }

  method RouteManyToOne(self: u64, configured: u32, hosts: seq<Host>) returns (hop: Hop, leader: u64)
    ensures configured > 0 ==> Leads(leader, self, configured, hosts)
    ensures configured == 0 ==> Leads(leader, self, 1, hosts)
    ensures hop == if leader == self then Parked else Forwarded(Address(leader))
  {
    leader := FindLeader(self, configured, hosts);
    hop := if leader == self then Parked else Forwarded(Address(leader));
  }

  /**
   * A forwarded task reaches its leader, and is parked there, exactly if the leader's number
   * fits the 32-bit address it is sent to.
   */
  lemma ParksAfterOneHopIff(self: u64, n: nat, hosts: seq<Host>, l: u64, to: u64, m: u64)
    requires n >= 1 && Leads(l, self, n, hosts) && l != self && to == Address(l) && Leads(m, to, n, hosts)
    ensures to == l && m == to <==> l < U32
  {
    AddressFits(l);
    if to == l { LeaderIdempotent(l, self, m, n, hosts); }
  }

  /** Node 2^32 leads node 2^32 + 1, whose task is sent to node 0 and parked there. */
  lemma TruncatedLeader()
    ensures
      var hosts := [Host(0, true), Host(U32, true), Host(U32 + 1, true)];
      && Leads(U32, U32 + 1, 2, hosts) && Address(U32) == 0 && Leads(0, 0, 2, hosts)
  {
    var hosts := [Host(0, true), Host(U32, true), Host(U32 + 1, true)];
    assert Candidate(hosts[1], U32 + 1, 2) && Candidate(hosts[0], 0, 2);
  }

  /** Where a task submitted on `x` is sent or parked, under leader `l`. */
  function Destination(x: u64, l: u64): u64 { if l == x then x else Address(l) }

  /** Two members of a window end up at the same node, unless one is the leader and the leader's number is truncated. */
  lemma OneParkingPlace(x: u64, y: u64, n: nat, hosts: seq<Host>, l: u64, m: u64)
    requires n >= 1 && Base(x, n) == Base(y, n) && HasCandidate(x, n, hosts)
    requires Leads(l, x, n, hosts) && Leads(m, y, n, hosts)
    ensures Destination(x, l) == Destination(y, m) <==> l < U32 || (x == l <==> y == l)
  {
    LeadersAgree(l, x, m, y, n, hosts);
    AddressFits(l);
  }
}
