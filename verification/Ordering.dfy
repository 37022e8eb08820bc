/** The lexicographic order on strings and sorting by it. */
module Ordering {

  predicate Below(a: string, b: string) {
    b != "" && (a == "" || a[0] < b[0] || (a[0] == b[0] && Below(a[1..], b[1..])))
  }

  /** The first place where they differ decides, and a proper prefix comes first. */
  ghost predicate DiffersAt(a: string, b: string, n: nat) {
    n <= |a| && n < |b| && a[..n] == b[..n] && (n == |a| || a[n] < b[n])
  }

  lemma DiffersLater(a: string, b: string, n: nat)
    requires a != "" && b != "" && a[0] == b[0]
    ensures DiffersAt(a, b, n + 1) <==> DiffersAt(a[1..], b[1..], n)
  {
    if n < |a| && n < |b| {
      assert a[..n + 1] == [a[0]] + a[1..][..n] && b[..n + 1] == [b[0]] + b[1..][..n];
      assert a[..n + 1][1..] == a[1..][..n] && b[..n + 1][1..] == b[1..][..n];
    }
  }

  lemma {:induction false} BelowIffDiffers(a: string, b: string)
    ensures Below(a, b) <==> exists n: nat :: DiffersAt(a, b, n)
  {
    if b != "" && a != "" && a[0] == b[0] {
      BelowIffDiffers(a[1..], b[1..]);
      if n: nat :| DiffersAt(a[1..], b[1..], n) {
        DiffersLater(a, b, n);
        assert DiffersAt(a, b, n + 1);
      }
      if n: nat :| DiffersAt(a, b, n) {
        DiffersLater(a, b, n - 1);
        assert DiffersAt(a[1..], b[1..], n - 1);
      }
    } else {
      forall n: nat | n > 0 ensures !DiffersAt(a, b, n) {
        assert n <= |a| && n <= |b| ==> a[..n][0] == a[0] && b[..n][0] == b[0];
      }
      assert Below(a, b) <==> DiffersAt(a, b, 0);
    }
  }

  lemma {:induction false} BelowTotal(a: string, b: string)
    ensures Below(a, b) || a == b || Below(b, a)
    ensures !Below(a, a)
    ensures !(Below(a, b) && Below(b, a))
  {
    if a != "" {
      BelowTotal(a[1..], a[1..]);
      if b != "" {
        BelowTotal(a[1..], b[1..]);
        assert a == [a[0]] + a[1..] && b == [b[0]] + b[1..];
      }
    }
  }

  lemma {:induction false} BelowTransitive(a: string, b: string, c: string)
    requires Below(a, b) && Below(b, c)
    ensures Below(a, c)
  {
    if a != "" && a[0] == b[0] && b[0] == c[0] {
      BelowTransitive(a[1..], b[1..], c[1..]);
    }
  }

  ghost predicate StrictlySorted(s: seq<string>) {
    forall i, j :: 0 <= i < j < |s| ==> Below(s[i], s[j])
  }

  /** Two strictly sorted lists of the same strings are the same list. */
  lemma {:induction false} SortedUnique(a: seq<string>, b: seq<string>)
    requires StrictlySorted(a) && StrictlySorted(b)
    requires forall k :: k in a <==> k in b
    ensures a == b
    decreases |a|
  {
    assert b != [] ==> b[0] in b;
    if a != [] {
      assert a[0] in b;
      assert b[0] in a;
      BelowTotal(a[0], b[0]);
      assert a[0] == b[0];
      forall k ensures k in a[1..] <==> k in b[1..] {
        TailMember(a, k);
        TailMember(b, k);
      }
      SortedUnique(a[1..], b[1..]);
    }
  }

  lemma TailMember(a: seq<string>, k: string)
    requires StrictlySorted(a) && a != []
    ensures k in a[1..] <==> k in a && k != a[0]
  {
    BelowTotal(a[0], a[0]);
    if k in a && k != a[0] {
      var i :| 0 <= i < |a| && a[i] == k;
      assert a[1..][i - 1] == k;
    }
    if k in a[1..] {
      var i :| 0 <= i < |a| - 1 && a[1..][i] == k;
      assert a[i + 1] == k;
      BelowTotal(a[0], k);
    }
  }

  method InsertSorted(s: seq<string>, k: string) returns (r: seq<string>)
    requires StrictlySorted(s) && k !in s
    ensures StrictlySorted(r)
    ensures forall x :: x in r <==> x in s || x == k
  {
    var i := 0;
    while i < |s| && Below(s[i], k)
      invariant 0 <= i <= |s|
      invariant forall j :: 0 <= j < i ==> Below(s[j], k)
    {
      i := i + 1;
    }
    forall j | i <= j < |s| ensures Below(k, s[j]) {
      BelowTotal(k, s[i]);
      if i < j {
        BelowTransitive(k, s[i], s[j]);
      }
    }
    r := s[..i] + [k] + s[i..];
    InsertedAt(s, k, i);
    forall x ensures x in r <==> x in s || x == k {
      InsertedMember(s, k, i, x);
    }
  }

  /** Putting k between what is below it and what is above it. */
  lemma InsertedAt(s: seq<string>, k: string, i: nat)
    requires i <= |s| && StrictlySorted(s)
    requires (forall j :: 0 <= j < i ==> Below(s[j], k)) && (forall j :: i <= j < |s| ==> Below(k, s[j]))
    ensures StrictlySorted(s[..i] + [k] + s[i..])
  {
    var r := s[..i] + [k] + s[i..];
    assert forall j :: 0 <= j < |r| ==> r[j] == if j < i then s[j] else if j == i then k else s[j - 1];
  }

  lemma InsertedMember<T>(s: seq<T>, k: T, i: nat, x: T)
    requires i <= |s|
    ensures x in s[..i] + [k] + s[i..] <==> x in s || x == k
  {
    assert s == s[..i] + s[i..];
    assert x in s <==> x in s[..i] || x in s[i..];
  }

  /** Lists the members of a set in increasing order, in whatever order they are enumerated. */
  method SortStrings(keys: set<string>) returns (s: seq<string>)
    ensures StrictlySorted(s)
    ensures forall k :: k in s <==> k in keys
  {
    s := [];
    var rest := keys;
    while rest != {}
      invariant rest <= keys
      invariant StrictlySorted(s)
      invariant forall k :: k in s <==> k in keys && k !in rest
      decreases rest
    {
      var k :| k in rest;
      s := InsertSorted(s, k);
      rest := rest - {k};
    }
  }
}
