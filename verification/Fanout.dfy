/**
 * Range and broadcast fan-out: a range of containers is resolved into sub-ranges, which
 * are resolved again wherever they arrive, until single containers are left. Offsets,
 * counts and the width computation are 32-bit.
 */
module Fanout {
  import opened Words

  datatype Query = Local | DirectId(id: u32) | Range(offset: u32, count: u32) | Broadcast

  // ------------------------------------------------------------------------- one resolution

  /** How many sub-ranges a range of `count` containers is split into; the sum wraps at 32 bits. */
  function Width(count: u32, n: u32): (q: nat)
    requires count >= 1 && n >= 1
    ensures 1 <= q <= count && (count >= 2 ==> q >= 2)
  {
    var ideal := ((count + n - 1) % U32) / n;
    IdealAtMost(count, n);
    var q := Min(ideal, n);
    if q <= 1 then count else q
  }

  lemma IdealAtMost(count: u32, n: u32)
    requires count >= 1 && n >= 1
    ensures ((count + n - 1) % U32) / n <= count
  {
    var sum := (count + n - 1) % U32;
    if sum / n > count {
      assert sum >= (sum / n) * n;
      Times(count + 1, sum / n, n);
      assert (count + 1) * n == count * n + n;
      Times(1, n, count);
      assert false;
    }
  }

  lemma Times(a: nat, b: nat, m: nat)
    requires a <= b
    ensures a * m <= b * m
  {
  }

  /** Sizes of the sub-ranges: the remainder is spread over the first ones. */
  function Size(count: nat, q: nat, i: nat): nat
    requires q >= 1
  {
    count / q + if i < count % q then 1 else 0
  }

  /** Containers in the sub-ranges before the i-th. */
  function Start(count: nat, q: nat, i: nat): nat
    requires q >= 1
  {
    i * (count / q) + Min(i, count % q)
  }

  lemma StartStep(count: nat, q: nat, i: nat)
    requires q >= 1
    ensures Start(count, q, i + 1) == Start(count, q, i) + Size(count, q, i)
  {
  }

  lemma StartEnd(count: nat, q: nat)
    requires q >= 1
    ensures Start(count, q, 0) == 0 && Start(count, q, q) == count
  {
    assert count == q * (count / q) + count % q;
  }

  function Plus(a: u32, b: nat): u32 { (a + b) % U32 }

  /** First container of the i-th sub-range. */
  function First(offset: u32, count: nat, q: nat, i: nat): u32
    requires q >= 1
  {
    if i == 0 then offset else Plus(First(offset, count, q, i - 1), Size(count, q, i - 1))
  }

  lemma {:induction false} FirstIsStart(offset: u32, count: nat, q: nat, i: nat)
    requires q >= 1
    ensures First(offset, count, q, i) == Plus(offset, Start(count, q, i))
  {
    if i == 0 {
      StartEnd(count, q);
    } else {
      FirstIsStart(offset, count, q, i - 1);
      StartStep(count, q, i - 1);
      Wrap(offset + Start(count, q, i - 1), Size(count, q, i - 1));
    }
  }

  lemma SizePositive(count: nat, q: nat, i: nat)
    requires 1 <= q <= count && i < q
    ensures 1 <= Size(count, q, i) <= count && (q >= 2 ==> Size(count, q, i) < count)
  {
    var per := count / q;
    assert count == q * per + count % q;
    if per == 0 { assert false; }
    if q >= 2 { Times(2, q, per); }
    else { assert count % q == 0; }
  }

  function Piece(offset: u32, count: u32, n: u32, i: nat): (p: (u32, u32))
    requires count >= 2 && n >= 1 && i < Width(count, n)
    ensures 1 <= p.1 < count
  {
    var q := Width(count, n);
    SizePositive(count, q, i);
    (First(offset, count, q, i), Size(count, q, i))
  }

  /** The sub-ranges of a range of two or more containers. */
  function Split(offset: u32, count: u32, n: u32): (ps: seq<(u32, u32)>)
    requires count >= 2 && n >= 1
    ensures |ps| == Width(count, n) && forall i :: 0 <= i < |ps| ==> 1 <= ps[i].1 < count
  {
    seq(Width(count, n), i requires 0 <= i < Width(count, n) => Piece(offset, count, n, i))
  }

  /** The loop that cuts a range into `q` sub-ranges. */
  method Cut(offset: u32, count: u32, q: nat) returns (r: seq<(u32, u32)>)
    requires 1 <= q <= count
    ensures |r| == q && forall j :: 0 <= j < q ==> r[j] == (First(offset, count, q, j), Size(count, q, j))
  {
    r := [];
    var current: u32 := offset;
    var i := 0;
    while i < q
      invariant 0 <= i <= q && |r| == i && current == First(offset, count, q, i)
      invariant forall j :: 0 <= j < i ==> r[j] == (First(offset, count, q, j), Size(count, q, j))
    {
      var c := count / q;
      if i < count % q { c := c + 1; }
      SizePositive(count, q, i);
      if c > 0 {
        r := r + [(current, c)];
        current := Plus(current, c);
      }
      i := i + 1;
    }
  }

  /**
   * `here` says whether a container is hosted on or mapped to this node. `None` is the division
   * by zero of a configured neighbourhood size of 0.
   */
  method ResolveRange(offset: u32, count: u32, n: u32, here: u32 -> bool) returns (r: Option<seq<Query>>)
    ensures r.None? <==> count >= 2 && n == 0
    ensures count == 0 ==> r == Some([])
    ensures count == 1 ==> r == Some([if here(offset) then Local else DirectId(offset)])
    ensures count >= 2 && n >= 1 ==> r == Some(Ranges(Split(offset, count, n)))
  {
    if count == 0 { return Some([]); }
    if count == 1 { return Some([if here(offset) then Local else DirectId(offset)]); }
    if n == 0 { return None; }
    var ideal := ((count + n - 1) % U32) / n;
    var q: nat := if ideal < n then ideal else n;
    if q <= 1 { q := count; }
    assert q == Width(count, n);
    var ps := Cut(offset, count, q);
    forall j | 0 <= j < q ensures ps[j] == Split(offset, count, n)[j] {
      assert Split(offset, count, n)[j] == Piece(offset, count, n, j);
    }
    assert ps == Split(offset, count, n);
    r := Some(Ranges(ps));
  }

  function Ranges(ps: seq<(u32, u32)>): seq<Query> {
    seq(|ps|, i requires 0 <= i < |ps| => Range(ps[i].0, ps[i].1))
  }

  /** A broadcast is the range of all containers of the pool; without a pool it stays as it is. */
  method ResolveBroadcast(containers: Option<u32>, n: u32, here: u32 -> bool) returns (r: Option<seq<Query>>)
    ensures r.None? <==> containers.Some? && containers.value >= 2 && n == 0
    ensures containers.None? || containers.value == 0 ==> r == Some([Broadcast])
    ensures containers == Some(1) ==> r == Some([if here(0) then Local else DirectId(0)])
    ensures containers.Some? && containers.value >= 2 && n >= 1 ==> r == Some(Ranges(Split(0, containers.value, n)))
  {
    if containers.None? || containers.value == 0 { return Some([Broadcast]); }
    r := ResolveRange(0, containers.value, n, here);
  }

  lemma Wrap(a: nat, b: nat)
    ensures (a % U32 + b) % U32 == (a + b) % U32
  {
  }

  // ------------------------------------------------------------------------- exact cover

  /** The containers of a range, in order; ids wrap at 32 bits. */
  function Containers(offset: u32, count: nat): (ids: seq<u32>)
    ensures |ids| == count
  {
    seq(count, i requires 0 <= i < count => Plus(offset, i))
  }

  function AllContainers(ps: seq<(u32, u32)>): seq<u32>
    decreases |ps|
  {
    if ps == [] then [] else AllContainers(ps[..|ps| - 1]) + Containers(ps[|ps| - 1].0, ps[|ps| - 1].1)
  }

  lemma ContainersJoin(offset: u32, a: nat, b: nat)
    ensures Containers(offset, a) + Containers(Plus(offset, a), b) == Containers(offset, a + b)
  {
    var right := Containers(Plus(offset, a), b);
    forall i | 0 <= i < b ensures right[i] == (offset + a + i) % U32 { Wrap(offset + a, i); }
  }

  lemma {:induction false} PrefixCovers(offset: u32, count: u32, n: u32, i: nat)
    requires count >= 2 && n >= 1 && i <= Width(count, n)
    ensures AllContainers(Split(offset, count, n)[..i]) == Containers(offset, Start(count, Width(count, n), i))
    decreases i
  {
    var ps, q := Split(offset, count, n), Width(count, n);
    if i == 0 {
      StartEnd(count, q);
    } else {
      PrefixCovers(offset, count, n, i - 1);
      assert ps[..i][..i - 1] == ps[..i - 1] && ps[i - 1] == Piece(offset, count, n, i - 1);
      FirstIsStart(offset, count, q, i - 1);
      StartStep(count, q, i - 1);
      ContainersJoin(offset, Start(count, q, i - 1), Size(count, q, i - 1));
    }
  }

  /** The sub-ranges cover the range exactly, in order, for every offset, count and neighbourhood size. */
  lemma SplitCovers(offset: u32, count: u32, n: u32)
    requires count >= 2 && n >= 1
    ensures AllContainers(Split(offset, count, n)) == Containers(offset, count)
  {
    var ps, q := Split(offset, count, n), Width(count, n);
    PrefixCovers(offset, count, n, q);
    StartEnd(count, q);
    assert ps[..q] == ps;
  }

  /** What resolving to the end reaches: the leaves, in order. */
  function Leaves(offset: u32, count: u32, n: u32): seq<u32>
    requires n >= 1
    decreases count, count + 1
  {
    if count == 0 then [] else if count == 1 then [offset]
    else AllLeaves(Split(offset, count, n), n, count)
  }

  function AllLeaves(ps: seq<(u32, u32)>, n: u32, bound: nat): seq<u32>
    requires n >= 1 && forall i :: 0 <= i < |ps| ==> ps[i].1 < bound
    decreases bound, |ps|
  {
    if ps == [] then []
    else AllLeaves(ps[..|ps| - 1], n, bound) + Leaves(ps[|ps| - 1].0, ps[|ps| - 1].1, n)
  }

  /** Resolving ends, and reaches every container of the range exactly once. */
  lemma {:induction false} LeavesExact(offset: u32, count: u32, n: u32)
    requires n >= 1
    ensures Leaves(offset, count, n) == Containers(offset, count)
    decreases count, count + 1
  {
    if count >= 2 {
      AllLeavesExact(Split(offset, count, n), n, count);
      SplitCovers(offset, count, n);
    } else if count == 1 {
      assert Containers(offset, 1) == [offset];
    }
  }

  lemma {:induction false} AllLeavesExact(ps: seq<(u32, u32)>, n: u32, bound: nat)
    requires n >= 1 && forall i :: 0 <= i < |ps| ==> ps[i].1 < bound
    ensures AllLeaves(ps, n, bound) == AllContainers(ps)
    decreases bound, |ps|
  {
    if ps != [] {
      AllLeavesExact(ps[..|ps| - 1], n, bound);
      LeavesExact(ps[|ps| - 1].0, ps[|ps| - 1].1, n);
    }
  }

  /** A broadcast reaches the containers 0, 1, ..., num - 1, each once. */
  lemma BroadcastExactlyOnce(num: u32, n: u32)
    requires n >= 1
    ensures |Leaves(0, num, n)| == num && forall i :: 0 <= i < num ==> Leaves(0, num, n)[i] == i
  {
    LeavesExact(0, num, n);
  }

  /** No container is reached twice, whatever the offset. */
  lemma LeavesDistinct(offset: u32, count: u32, n: u32, i: nat, j: nat)
    requires n >= 1 && i < j < count
    ensures |Leaves(offset, count, n)| == count && Leaves(offset, count, n)[i] != Leaves(offset, count, n)[j]
  {
    LeavesExact(offset, count, n);
    WrapDistinct(offset, i, j);
  }

  lemma WrapDistinct(offset: u32, i: nat, j: nat)
    requires i < j < U32
    ensures (offset + i) % U32 != (offset + j) % U32
  {
  }

  // -------------------------------------------------------------------------------- bounds

  predicate Overflows(count: u32, n: u32) { count + n - 1 >= U32 }

  /** The width stays within the neighbourhood exactly if the range does, or the neighbourhood is not 1 and nothing wraps. */
  lemma WidthBoundIff(count: u32, n: u32)
    requires count >= 1 && n >= 1
    ensures Width(count, n) <= n <==> count <= n || (n >= 2 && !Overflows(count, n))
    ensures (n == 1 || Overflows(count, n)) ==> Width(count, n) == count
  {
    var sum := (count + n - 1) % U32;
    if Overflows(count, n) {
      assert sum == count + n - 1 - U32 < n;
      assert sum / n == 0;
    } else if n >= 2 {
      CeilBound(count, n);
    }
  }

  function Sum(sizes: seq<nat>): nat { if sizes == [] then 0 else sizes[0] + Sum(sizes[1..]) }

  lemma {:induction false} SumAtMost(sizes: seq<nat>, m: nat)
    requires forall i :: 0 <= i < |sizes| ==> sizes[i] <= m
    ensures Sum(sizes) <= |sizes| * m
  {
    if sizes != [] {
      SumAtMost(sizes[1..], m);
      assert |sizes| * m == m + (|sizes| - 1) * m;
    }
  }

  /** A division of `count` containers into parts of at most `m`. */
  ghost predicate Divides(sizes: seq<nat>, count: nat, m: nat) {
    Sum(sizes) == count && forall i :: 0 <= i < |sizes| ==> sizes[i] <= m
  }

  lemma CeilLeast(count: nat, n: nat, q: nat)
    requires n >= 1 && count <= q * n
    ensures (count + n - 1) / n <= q
  {
    var c := (count + n - 1) / n;
    assert count + n - 1 == n * c + (count + n - 1) % n;
    if c > q { Times(q + 1, c, n); assert false; }
  }

  /**
   * How many sub-ranges a range gets, if the neighbourhood is at least 2 and no sum wraps: one per container
   * if it has no more containers than the neighbourhood, else the neighbourhood if it has more than
   * its square, else the fewest that leave no sub-range larger than the neighbourhood.
   */
  lemma WidthExact(offset: u32, count: u32, n: u32)
    requires count >= 2 && n >= 2 && !Overflows(count, n)
    ensures
      var ps := Split(offset, count, n);
      && (count <= n ==> |ps| == count)
      && (count > n * n ==> |ps| == n)
      && (n < count <= n * n ==>
            && (forall i :: 0 <= i < |ps| ==> ps[i].1 <= n)
            && (forall sizes: seq<nat> :: Divides(sizes, count, n) ==> |ps| <= |sizes|))
  {
    var q, c := Width(count, n), (count + n - 1) / n;
    CeilBound(count, n);
    if count > n * n {
      if c <= n { Times(c, n, n); assert false; }
    } else if count > n {
      CeilLeast(count, n, n);
      forall i | 0 <= i < q ensures Split(offset, count, n)[i].1 <= n { SizeAtMost(count, q, i, n); }
      forall sizes: seq<nat> | Divides(sizes, count, n) ensures q <= |sizes| {
        SumAtMost(sizes, n);
        CeilLeast(count, n, |sizes|);
      }
    }
  }

  /** Two ranges that get more sub-ranges than the neighbourhood has nodes. */
  lemma TooWide()
    ensures Width(3, 1) == 3 && Width(0xFFFF_FFFF, 2) == 0xFFFF_FFFF
  {
    WidthBoundIff(3, 1);
    WidthBoundIff(0xFFFF_FFFF, 2);
  }

  lemma CeilBound(count: nat, n: nat)
    requires count >= 1 && n >= 1
    ensures
      var c := (count + n - 1) / n;
      count <= c * n < count + n && (c <= 1 <==> count <= n)
  {
    var c := (count + n - 1) / n;
    assert count + n - 1 == n * c + (count + n - 1) % n;
  }

  /** The sizes of the sub-ranges differ by at most one, and the larger ones come first. */
  lemma Balanced(offset: u32, count: u32, n: u32, i: nat, j: nat)
    requires count >= 2 && n >= 1 && i < Width(count, n) && j < Width(count, n)
    ensures Piece(offset, count, n, i).1 <= Piece(offset, count, n, j).1 + 1
    ensures i <= j ==> Piece(offset, count, n, i).1 >= Piece(offset, count, n, j).1
  {
  }

  function Pow(n: nat, k: nat): nat { if k == 0 then 1 else n * Pow(n, k - 1) }

  /** Every range is a single container after at most `k` rounds of resolving. */
  ghost predicate SinglesWithin(count: u32, n: u32, k: nat)
    requires n >= 1
    decreases k
  {
    count <= 1 || (k > 0 && forall i :: 0 <= i < Width(count, n) ==> SinglesWithin(PieceSize(count, n, i), n, k - 1))
  }

  function PieceSize(count: u32, n: u32, i: nat): u32
    requires count >= 2 && n >= 1 && i < Width(count, n)
  {
    Piece(0, count, n, i).1
  }

  lemma SizeAtMost(count: nat, q: nat, i: nat, m: nat)
    requires q >= 1 && count <= q * m
    ensures Size(count, q, i) <= m
  {
    var per := count / q;
    assert count == q * per + count % q;
    if per > m { Times(m + 1, per, q); assert false; }
    if per == m && count % q > 0 { assert false; }
  }

  lemma SizeAbove(count: nat, q: nat, m: nat)
    requires q >= 1 && count > q * m
    ensures Size(count, q, 0) > m
  {
    var per := count / q;
    assert count == q * per + count % q;
    if per < m { Times(per + 1, m, q); assert false; }
  }

  /** A split into `Width` parts is fine enough to lose one power of the neighbourhood size, and no finer. */
  lemma WidthTimesPower(count: u32, n: u32, k: nat)
    requires count >= 2 && n >= 2 && !Overflows(count, n) && k >= 1
    ensures count <= Pow(n, k) <==> count <= Width(count, n) * Pow(n, k - 1)
  {
    var q := Width(count, n);
    CeilBound(count, n);
    WidthBoundIff(count, n);
    PowPositive(n, k - 1);
    var m := Pow(n, k - 1);
    if count <= n {
      Times(1, m, n);
      Times(1, m, count);
    } else {
      Times(q, n, m);
      if q < n && k >= 2 {
        PowPositive(n, k - 2);
        Times(1, Pow(n, k - 2), n);
        Times(n, m, q);
      }
    }
  }

  lemma {:induction false} PowPositive(n: nat, k: nat)
    requires n >= 1
    ensures Pow(n, k) >= 1
  {
    if k > 0 {
      PowPositive(n, k - 1);
      Times(1, n, Pow(n, k - 1));
    }
  }

  /** A range comes down to single containers within `k` rounds if and only if it has at most n^k of them. */
  lemma {:induction false} RoundsExact(count: u32, n: u32, k: nat)
    requires n >= 2 && count >= 1 && !Overflows(count, n)
    ensures SinglesWithin(count, n, k) <==> count <= Pow(n, k)
    decreases k
  {
    PowPositive(n, k);
    if count >= 2 && k > 0 {
      var q, m := Width(count, n), Pow(n, k - 1);
      WidthTimesPower(count, n, k);
      if count <= q * m {
        forall i | 0 <= i < q ensures SinglesWithin(PieceSize(count, n, i), n, k - 1) {
          SizeAtMost(count, q, i, m);
          RoundsExact(PieceSize(count, n, i), n, k - 1);
        }
      } else {
        SizeAbove(count, q, m);
        RoundsExact(PieceSize(count, n, 0), n, k - 1);
      }
    }
  }

  /** Otherwise the range is cut into single containers at once. */
  lemma OneRound(count: u32, n: u32)
    requires count >= 1 && n >= 1 && (n == 1 || Overflows(count, n))
    ensures SinglesWithin(count, n, 1)
  {
    WidthBoundIff(count, n);
    if count >= 2 {
      forall i | 0 <= i < Width(count, n) ensures SinglesWithin(PieceSize(count, n, i), n, 0) {
        SizeAtMost(count, count, i, 1);
      }
    }
  }
}
