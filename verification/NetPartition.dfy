/** Splitting a server group into two sides on the test network. */
module NetPartition {

  /** The listed servers exist. */
  predicate InRange(p: seq<nat>, n: nat) {
    forall k :: 0 <= k < |p| ==> p[k] < n
  }

  predicate DisjointSides(p1: seq<nat>, p2: seq<nat>) {
    forall x :: x in p1 ==> x !in p2
  }

  class ServerGrp {
    const n: nat
    /** Whether each server is on the net. */
    var connected: array<bool>
    /** link[i, j]: the end point through which server i calls server j is enabled. */
    var link: array2<bool>

    ghost predicate Valid()
      reads this
    {
      connected.Length == n && link.Length0 == n && link.Length1 == n
    }

    constructor (n: nat)
      ensures Valid() && this.n == n && fresh(connected) && fresh(link)
    {
      this.n := n;
      connected := new bool[n](_ => false);
      link := new bool[n, n]((_, _) => false);
    }

    /** Attaches server i to the servers listed that are on the net, both ways. */
    method Connect(i: nat, to: seq<nat>)
      requires Valid() && i < n && InRange(to, n)
      modifies connected, link
      ensures forall k :: 0 <= k < n ==> connected[k] == (k == i || old(connected[k]))
      ensures forall a, b :: 0 <= a < n && 0 <= b < n ==>
                link[a, b] == (old(link[a, b]) || (a == i && b in to && connected[b]) || (b == i && a in to &&
                    connected[a]))
    {
      connected[i] := true;
      for j := 0 to |to|
        invariant forall k :: 0 <= k < n ==> connected[k] == (k == i || old(connected[k]))
        invariant forall a, b :: 0 <= a < n && 0 <= b < n ==>
                    link[a, b] == (old(link[a, b]) || (a == i && b in to[..j] && connected[b]))
      {
        assert to[..j + 1] == to[..j] + [to[j]];
        if connected[to[j]] {
          link[i, to[j]] := true;
        }
      }
      assert to[..|to|] == to;
      for j := 0 to |to|
        invariant forall k :: 0 <= k < n ==> connected[k] == (k == i || old(connected[k]))
        invariant forall a, b :: 0 <= a < n && 0 <= b < n ==>
                    link[a, b] == (old(link[a, b]) || (a == i && b in to && connected[b]) ||
                                   (b == i && a in to[..j] && connected[a]))
      {
        assert to[..j + 1] == to[..j] + [to[j]];
        if connected[to[j]] {
          link[to[j], i] := true;
        }
      }
    }

    /** Detaches server i from the servers listed, both ways. */
    method Disconnect(i: nat, from: seq<nat>)
      requires Valid() && i < n && InRange(from, n)
      modifies connected, link
      ensures forall k :: 0 <= k < n ==> connected[k] == (k != i && old(connected[k]))
      ensures forall a, b :: 0 <= a < n && 0 <= b < n ==>
                link[a, b] == (old(link[a, b]) && !(a == i && b in from) && !(b == i && a in from))
    {
      connected[i] := false;
      for j := 0 to |from|
        invariant forall k :: 0 <= k < n ==> connected[k] == (k != i && old(connected[k]))
        invariant forall a, b :: 0 <= a < n && 0 <= b < n ==>
                    link[a, b] == (old(link[a, b]) && !(a == i && b in from[..j]))
      {
        assert from[..j + 1] == from[..j] + [from[j]];
        link[i, from[j]] := false;
      }
      assert from[..|from|] == from;
      for j := 0 to |from|
        invariant forall k :: 0 <= k < n ==> connected[k] == (k != i && old(connected[k]))
        invariant forall a, b :: 0 <= a < n && 0 <= b < n ==>
                    link[a, b] == (old(link[a, b]) && !(a == i && b in from) && !(b == i && a in from[..j]))
      {
        assert from[..j + 1] == from[..j] + [from[j]];
        link[from[j], i] := false;
      }
    }

    /** One side of a split: every listed server leaves the other side and joins its own. */
    method SplitSide(own: seq<nat>, other: seq<nat>)
      requires Valid() && InRange(own, n) && InRange(other, n)
      modifies connected, link
      ensures forall k :: 0 <= k < n ==> connected[k] == (k in own || old(connected[k]))
      ensures DisjointSides(own, other) ==> forall a, b :: a in own && b in own ==> link[a, b]
      ensures DisjointSides(own, other) ==> forall a, b :: a in own && b in other ==> !link[a, b] && !link[b, a]
      ensures forall a, b :: 0 <= a < n && 0 <= b < n && a !in own && b !in own ==> link[a, b] == old(link[a, b])
      ensures forall a, b :: 0 <= a < n && 0 <= b < n && (a !in own + other || b !in own + other) ==>
                link[a, b] == old(link[a, b])
    {
      for i := 0 to |own|
        invariant forall k :: 0 <= k < n ==> connected[k] == (k in own[..i] || old(connected[k]))
        invariant DisjointSides(own, other) ==> forall a, b :: a in own[..i] && b in own[..i] ==> link[a, b]
        invariant DisjointSides(own, other) ==>
                    forall a, b :: a in own[..i] && b in other ==> !link[a, b] && !link[b, a]
        invariant forall a, b :: 0 <= a < n && 0 <= b < n && a !in own && b !in own ==> link[a, b] == old(link[a, b])
        invariant forall a, b :: 0 <= a < n && 0 <= b < n && (a !in own + other || b !in own + other) ==>
                    link[a, b] == old(link[a, b])
      {
        assert own[..i + 1] == own[..i] + [own[i]];
        assert own[i] in own;
        Disconnect(own[i], other);
        Connect(own[i], own);
      }
      assert own[..|own|] == own;
    }

    /**
     After splitting into two disjoint sides, a link between two listed servers is enabled exactly when
     both are on the same side, whatever was enabled before; links to unlisted servers stay as they were.
     */
    method Partition(p1: seq<nat>, p2: seq<nat>)
      requires Valid() && InRange(p1, n) && InRange(p2, n)
      modifies connected, link
      ensures DisjointSides(p1, p2) ==>
                forall a, b :: a in p1 + p2 && b in p1 + p2 ==> (link[a, b] <==> (a in p1 <==> b in p1))
      ensures forall k :: 0 <= k < n ==> connected[k] == (k in p1 + p2 || old(connected[k]))
      ensures forall a, b :: 0 <= a < n && 0 <= b < n && (a !in p1 + p2 || b !in p1 + p2) ==>
                link[a, b] == old(link[a, b])
    {
      SplitSide(p1, p2);
      assert DisjointSides(p1, p2) ==> DisjointSides(p2, p1);
      SplitSide(p2, p1);
    }

    /** Every server rejoins the net; each meets those already back, and all links end enabled. */
    method ConnectAll()
      requires Valid()
      modifies connected, link
      ensures forall k :: 0 <= k < n ==> connected[k]
      ensures forall a, b :: 0 <= a < n && 0 <= b < n ==> link[a, b]
    {
      var all := seq(n, k => k);
      for i := 0 to n
        invariant forall k :: 0 <= k < i ==> connected[k]
        invariant forall a, b :: 0 <= a < i && 0 <= b < i ==> link[a, b]
      {
        forall k: nat | k < n ensures k in all {
          assert all[k] == k;
        }
        Connect(i, all);
      }
    }
  }
}
